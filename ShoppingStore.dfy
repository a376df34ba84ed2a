/** The `sItems` state cell of `ShoppingListApp` as an object, with one
    method per event handler that reassigns or updates it. */
module ShoppingStore {
  import opened Text
  import opened ShoppingItems

  class Store {
    /** The current list, in display order. */
    var items: seq<Item>

    /** The list starts empty. */
    constructor ()
      ensures items == []
    {
      items := [];
    }

    /** The add button. The id is taken and the quantity parsed before the
        list is reassigned, so a throwing parse leaves the list as it was. */
    method OnAddClick(name: string, quantityText: string) returns (outcome: AddOutcome)
      modifies this
      ensures outcome == AddItem(old(items), name, quantityText)
      ensures items == if outcome.Done? then outcome.items else old(items)
      ensures outcome.Done? ==> |items| <= |old(items)| + 1 && items[..|old(items)|] == old(items)
    {
      outcome := Done(items);
      if !IsBlank(name) {
        var id := |items| + 1;
        var quantity := ParseInt(quantityText);
        if quantity.None? {
          return NumberFormatError;
        }
        items := items + [Item(id, name, quantity.value as Int32, false)];
        outcome := Done(items);
      }
    }

    /** The edit icon of the entry with id `t`. */
    method OnEditClick(t: int)
      modifies this
      ensures items == BeginEdit(old(items), t)
    {
      items := BeginEdit(items, t);
    }

    /** The editor's save button for the entry with id `t`: close every
        editor, find the first entry with that id, and overwrite its name and
        quantity in place. */
    method OnEditComplete(t: int, editedName: string, editedQuantity: Int32)
      modifies this
      ensures items == CommitEdit(old(items), t, editedName, editedQuantity)
    {
      items := CloseAll(items);
      var found := FirstWithId(items, t);
      if found.Some? {
        var k := found.value;
        items := items[k := items[k].(name := editedName)];
        items := items[k := items[k].(quantity := editedQuantity)];
      }
    }

    /** The delete handler for entry `x`. */
    method OnDeleteClick(x: Item)
      modifies this
      ensures items == DeleteItem(old(items), x)
    {
      items := DeleteItem(items, x);
    }
  }
}
