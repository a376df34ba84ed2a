/** The shopping list as a value: the `ShoppingItem` record and what each of
    the four event handlers of `ShoppingListApp` makes of the list. */
module ShoppingItems {
  import opened Text

  /** One entry of the list. The quantity is a Kotlin `Int`; `isEditing` is
      true while the entry's inline editor is shown, and new entries start
      with it false. */
  datatype Item = Item(id: int, name: string, quantity: Int32, isEditing: bool)

  /** The entry with its editor closed, as `copy(isEditing = false)` makes it. */
  function Closed(x: Item): Item {
    x.(isEditing := false)
  }

  /** What the add button leaves behind: the new list, or the exception that
      `toInt` throws before the list is reassigned. */
  datatype AddOutcome = Done(items: seq<Item>) | NumberFormatError

  // ---------------------------------------------------------------- add

  /** The add button: nothing happens for a blank name; otherwise the
      quantity text is parsed strictly and the new entry, numbered one past
      the current length, goes to the end. */
  function AddItem(items: seq<Item>, name: string, quantityText: string): (r: AddOutcome)
    ensures IsBlank(name) ==> r == Done(items)
    ensures !IsBlank(name) ==> (r.NumberFormatError? <==> ParseInt(quantityText).None?)
    ensures r.Done? && !IsBlank(name) ==>
      |r.items| == |items| + 1 && r.items[..|items|] == items &&
      r.items[|items|] == Item(|items| + 1, name, ParseInt(quantityText).value as Int32, false)
  {
    if IsBlank(name) then Done(items)
    else
      match ParseInt(quantityText)
      case None => NumberFormatError
      case Some(q) => Done(items + [Item(|items| + 1, name, q as Int32, false)])
  }

  // ---------------------------------------------------------- begin-edit

  /** The edit icon of entry `t`: every entry with id `t` opens its editor,
      every other entry closes it; nothing else changes. */
  function BeginEdit(items: seq<Item>, t: int): (r: seq<Item>)
    ensures |r| == |items|
    ensures forall i :: 0 <= i < |r| ==> Closed(r[i]) == Closed(items[i])
    ensures forall i :: 0 <= i < |r| ==> (r[i].isEditing <==> items[i].id == t)
  {
    seq(|items|, i requires 0 <= i < |items| => items[i].(isEditing := items[i].id == t))
  }

  // --------------------------------------------------------- commit-edit

  /** Every entry with its editor closed. */
  function CloseAll(items: seq<Item>): (r: seq<Item>)
    ensures |r| == |items|
    ensures forall i :: 0 <= i < |r| ==> r[i] == Closed(items[i])
  {
    seq(|items|, i requires 0 <= i < |items| => Closed(items[i]))
  }

  /** `i` is the position `find { it.id == t }` stops at. */
  predicate IsFirstWithId(items: seq<Item>, t: int, i: int) {
    0 <= i < |items| && items[i].id == t && forall j :: 0 <= j < i ==> items[j].id != t
  }

  /** `find { it.id == t }`, as a position: the first entry with id `t`. */
  function FirstWithId(items: seq<Item>, t: int): (r: Option<nat>)
    ensures r.Some? ==> IsFirstWithId(items, t, r.value)
    ensures r.None? ==> forall j :: 0 <= j < |items| ==> items[j].id != t
  {
    if items == [] then None
    else if items[0].id == t then Some(0)
    else
      match FirstWithId(items[1..], t)
      case None => None
      case Some(k) => Some(k + 1)
  }

  /** The save button of the editor for entry `t`: all editors close, then
      the first entry with id `t` takes the edited name and quantity. */
  function CommitEdit(items: seq<Item>, t: int, name: string, quantity: Int32): (r: seq<Item>)
    ensures |r| == |items|
    ensures forall i :: 0 <= i < |r| ==> !r[i].isEditing && r[i].id == items[i].id
    ensures forall i :: 0 <= i < |r| && IsFirstWithId(items, t, i) ==>
      r[i].name == name && r[i].quantity == quantity
    ensures forall i :: 0 <= i < |r| && !IsFirstWithId(items, t, i) ==> r[i] == Closed(items[i])
  {
    var closed := CloseAll(items);
    match FirstWithId(closed, t)
    case None => closed
    case Some(k) => closed[k := closed[k].(name := name, quantity := quantity)]
  }

  /** The quantity the editor hands over: the edited text parsed leniently,
      falling back to 1. */
  function LenientQuantity(text: string): (q: Int32)
    ensures ParseInt(text).Some? ==> q as int == ParseInt(text).value
    ensures ParseInt(text).None? ==> q == 1
  {
    match ParseInt(text)
    case Some(v) => v as Int32
    case None => 1
  }

  // -------------------------------------------------------------- delete

  /** `items - x`: the first entry equal to `x` in every field goes, the
      rest keep their order. */
  function DeleteItem(items: seq<Item>, x: Item): (r: seq<Item>)
    ensures x in items ==> |r| == |items| - 1
    ensures x !in items ==> r == items
  {
    if items == [] then []
    else if items[0] == x then items[1..]
    else [items[0]] + DeleteItem(items[1..], x)
  }

  /** What delete leaves is the old bag of entries with one copy of `x`
      taken out (none when there was no copy). */
  lemma {:induction false} DeleteItemMultiset(items: seq<Item>, x: Item)
    ensures multiset(DeleteItem(items, x)) == multiset(items) - multiset{x}
  {
    if items != [] {
      assert items == [items[0]] + items[1..];
      if items[0] != x {
        DeleteItemMultiset(items[1..], x);
      }
    }
  }

  // ------------------------------------------------------------- lemmas

  /** Delete cuts out exactly the first occurrence. */
  lemma {:induction false} DeleteFirstOccurrence(items: seq<Item>, x: Item, k: nat)
    requires k < |items| && items[k] == x && x !in items[..k]
    ensures DeleteItem(items, x) == items[..k] + items[k + 1..]
    decreases k
  {
    if k == 0 {
      assert items[..0] + items[1..] == items[1..];
    } else {
      var tail := items[1..];
      assert items[0] != x by {
        assert items[0] == items[..k][0];
      }
      assert x !in tail[..k - 1] by {
        assert tail[..k - 1] == items[..k][1..];
      }
      DeleteFirstOccurrence(tail, x, k - 1);
      calc {
        DeleteItem(items, x);
        [items[0]] + DeleteItem(tail, x);
        [items[0]] + (tail[..k - 1] + tail[k..]);
        { assert [items[0]] + tail[..k - 1] == items[..k]; assert tail[k..] == items[k + 1..]; }
        items[..k] + items[k + 1..];
      }
    }
  }

  /** Deleting the entry that was just added gives the old list back,
      provided no earlier entry was equal to it. */
  lemma AddThenDelete(items: seq<Item>, name: string, quantityText: string)
    requires !IsBlank(name) && ParseInt(quantityText).Some?
    requires Item(|items| + 1, name, ParseInt(quantityText).value as Int32, false) !in items
    ensures AddItem(items, name, quantityText).Done?
    ensures DeleteItem(AddItem(items, name, quantityText).items,
                       Item(|items| + 1, name, ParseInt(quantityText).value as Int32, false)) == items
  {
    var added := AddItem(items, name, quantityText).items;
    DeleteFirstOccurrence(added, added[|items|], |items|);
    assert added[..|items|] + added[|items| + 1..] == items;
  }

  /** Clicking the edit icon twice is the same as clicking it once. */
  lemma BeginEditIdempotent(items: seq<Item>, t: int)
    ensures BeginEdit(BeginEdit(items, t), t) == BeginEdit(items, t)
  {
  }

  /** The contract of `BeginEdit` pins its result down: any list that keeps
      length and fields and flags exactly the entries with id `t` is it. */
  lemma BeginEditUnique(items: seq<Item>, t: int, r: seq<Item>)
    requires |r| == |items|
    requires forall i :: 0 <= i < |r| ==> Closed(r[i]) == Closed(items[i])
    requires forall i :: 0 <= i < |r| ==> (r[i].isEditing <==> items[i].id == t)
    ensures r == BeginEdit(items, t)
  {
  }

  predicate DistinctIds(items: seq<Item>) {
    forall i, j :: 0 <= i < j < |items| ==> items[i].id != items[j].id
  }

  /** When ids are distinct, at most one editor is open after an edit click. */
  lemma BeginEditSingleEditor(items: seq<Item>, t: int, i: nat, j: nat)
    requires DistinctIds(items)
    requires i < j < |items|
    ensures !(BeginEdit(items, t)[i].isEditing && BeginEdit(items, t)[j].isEditing)
  {
  }

  /** Saving on an id no entry carries only closes the editors. */
  lemma CommitEditNoMatch(items: seq<Item>, t: int, name: string, quantity: Int32)
    requires forall j :: 0 <= j < |items| ==> items[j].id != t
    ensures CommitEdit(items, t, name, quantity) == CloseAll(items)
  {
  }

  /** Saving an editor whose fields were left as prefilled (the name, and the
      quantity printed by `toString`) changes nothing but the flags. */
  lemma SaveUnchangedEditor(items: seq<Item>, k: nat)
    requires k < |items| && IsFirstWithId(items, items[k].id, k)
    ensures CommitEdit(items, items[k].id, items[k].name,
                       LenientQuantity(ToDecimalString(items[k].quantity as int))) == CloseAll(items)
  {
    ParseToDecimalString(items[k].quantity as int);
    var r := CommitEdit(items, items[k].id, items[k].name, items[k].quantity);
    forall i | 0 <= i < |items| ensures r[i] == CloseAll(items)[i] {
    }
  }

  /** Strict and lenient parsing agree wherever the strict one succeeds:
      an accepted add stores the quantity a save would store; where add
      throws, a save stores 1. */
  lemma AddAndEditQuantities(items: seq<Item>, name: string, text: string)
    requires !IsBlank(name)
    ensures AddItem(items, name, text).Done? ==>
      AddItem(items, name, text).items[|items|].quantity == LenientQuantity(text)
    ensures AddItem(items, name, text).NumberFormatError? ==> LenientQuantity(text) == 1
  {
  }

  /** Ids are not unique: deleting the first of two entries and adding
      another numbers the new one like the surviving one. */
  lemma IdsCanRepeat()
    ensures var before := [Item(1, "a", 1, false), Item(2, "b", 1, false)];
            var after := AddItem(DeleteItem(before, before[0]), "c", "1");
            after.Done? && |after.items| == 2 && after.items[0].id == after.items[1].id == 2
  {
    var before := [Item(1, "a", 1, false), Item(2, "b", 1, false)];
    assert DeleteItem(before, before[0]) == [Item(2, "b", 1, false)];
    assert "1"[..0] == [];
    assert ParseInt("1") == Some(1);
    assert !IsWhitespace("c"[0]);
  }

  /** With a repeated id, the edit icon of the later entry opens both
      editors, and saving the later one overwrites the earlier entry while
      the later one only closes. */
  lemma DuplicateIdEdit(items: seq<Item>, i: nat, j: nat, name: string, quantity: Int32)
    requires i < j < |items| && items[i].id == items[j].id
    requires IsFirstWithId(items, items[i].id, i)
    ensures BeginEdit(items, items[j].id)[i].isEditing && BeginEdit(items, items[j].id)[j].isEditing
    ensures CommitEdit(items, items[j].id, name, quantity)[i] == Item(items[i].id, name, quantity, false)
    ensures CommitEdit(items, items[j].id, name, quantity)[j] == Closed(items[j])
  {
  }

  // ------------------------------------------------------ event sequences

  /** One user action on the list; a save carries the editor's text as typed. */
  datatype Event =
    | AddClick(name: string, quantityText: string)
    | EditClick(id: int)
    | SaveClick(id: int, editedName: string, editedQuantityText: string)
    | DeleteClick(item: Item)

  function Step(items: seq<Item>, e: Event): AddOutcome {
    match e
    case AddClick(name, text) => AddItem(items, name, text)
    case EditClick(t) => Done(BeginEdit(items, t))
    case SaveClick(t, name, text) => Done(CommitEdit(items, t, name, LenientQuantity(text)))
    case DeleteClick(x) => Done(DeleteItem(items, x))
  }

  /** Only an add with a non-blank name lengthens the list, by one; only a
      delete of a present entry shortens it, by one; edits keep the length. */
  lemma StepLength(items: seq<Item>, e: Event)
    ensures Step(items, e).Done? ==>
      |Step(items, e).items| ==
        if e.AddClick? && !IsBlank(e.name) then |items| + 1
        else if e.DeleteClick? && e.item in items then |items| - 1
        else |items|
  {
  }

  /** The list after a run of actions; an add that throws ends the run with
      the list as it was. */
  function Run(items: seq<Item>, events: seq<Event>): seq<Item>
    decreases |events|
  {
    if events == [] then items
    else
      match Step(items, events[0])
      case NumberFormatError => items
      case Done(next) => Run(next, events[1..])
  }

  function CountAdds(events: seq<Event>): nat {
    if events == [] then 0 else (if events[0].AddClick? then 1 else 0) + CountAdds(events[1..])
  }

  function CountDeletes(events: seq<Event>): nat {
    if events == [] then 0 else (if events[0].DeleteClick? then 1 else 0) + CountDeletes(events[1..])
  }

  /** Over any run, the list grows by at most the number of adds and shrinks
      by at most the number of deletes. */
  lemma {:induction false} RunLength(items: seq<Item>, events: seq<Event>)
    ensures |items| - CountDeletes(events) <= |Run(items, events)| <= |items| + CountAdds(events)
    decreases |events|
  {
    if events != [] {
      StepLength(items, events[0]);
      match Step(items, events[0])
      case NumberFormatError =>
      case Done(next) => RunLength(next, events[1..]);
    }
  }
}
