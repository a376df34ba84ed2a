# Shopping list: a Dafny model of the item store

The Android app keeps one piece of state, `sItems`: an ordered list of
`ShoppingItem(id, name, quantity, isEditing)` records. Four event handlers in
`ShoppingListApp` change it:

- **add** (the dialog's Add button): a blank name does nothing; otherwise the
  quantity text is parsed strictly with `toInt` and a new entry with
  `id = size + 1` and `isEditing = false` is appended. A quantity that does not
  parse throws before the list is reassigned.
- **begin-edit** (an entry's edit icon): every entry whose id matches gets
  `isEditing = true`, every other entry `false`.
- **commit-edit** (the inline editor's Save button): all flags are cleared, then
  the first entry with the edited id has its `name` and `quantity` overwritten
  in place. The quantity comes from `toIntOrNull() ?: 1`, so bad text becomes 1.
- **delete**: `sItems - item` removes the first entry equal to `item` in all
  four fields.

The project has three modules:

- `Text` (`Text.dfy`): Kotlin's `isBlank`, a decimal parser standing for
  `String.toInt` / `String.toIntOrNull` (optional `-` or `+`, at least one
  digit, 32-bit range), and `Int.toString`. Lemmas give what the parser
  accepts and rejects, and the round trip from `toString` back through the
  parser.
- `ShoppingItems` (`ShoppingItems.dfy`): the `Item` datatype and one pure
  function per handler (`AddItem`, `BeginEdit`, `CommitEdit`, `DeleteItem`).
  Their contracts give length, order, fields and flags. The lemmas relate the
  operations to each other and to runs of user actions.
- `ShoppingStore` (`ShoppingStore.dfy`): a `Store` class holding the list as a
  `seq<Item>` field. It has one method per handler. `OnEditComplete` follows
  the source step by step: close all editors, find the entry, overwrite its two
  fields.

The model follows the code as written. In particular:

- delete removes the first entry equal to the given one in all four fields;
- add accepts negative quantities such as `-5`;
- ids can repeat (`IdsCanRepeat`);
- begin-edit flags every entry with the clicked id;
- commit-edit updates only the first entry with the edited id
  (`DuplicateIdEdit`).

Quantities have the type `Int32`, a Dafny newtype for Kotlin's 32-bit `Int`:
`quantity : Int` (line 279) and the editor callback `(String, Int)` (line 182)
hold only values of that range.

## Model

| member | source | states |
|---|---|---|
| `Text.ParseInt` | app/src/main/java/com/example/shoppinglist/MainActivity.kt:132 | a parsed value is within the 32-bit `Int` range; success needs non-empty text whose first character is a digit, or a sign followed by more text, and whose other characters are all digits; the result is non-negative after a leading digit or `+` and non-positive after `-` |
| `Text.ParseIntAccepts` | app/src/main/java/com/example/shoppinglist/MainActivity.kt:132 | an optional `-` or `+` followed by a non-empty run of digits (leading zeros allowed) parses to the signed value of the digits when that value fits in an `Int`, and fails when it does not |
| `Text.ParseIntExamples` | app/src/main/java/com/example/shoppinglist/MainActivity.kt:132 | `+5` parses to 5, `007` to 7, `-0` to 0 and `-5` to -5 |
| `Text.ParseIntRangeEdges` | app/src/main/java/com/example/shoppinglist/MainActivity.kt:132 | `2147483648` (one past `Int.MAX_VALUE`) fails; `-2147483648` parses to `Int.MIN_VALUE` |
| `Text.BlankExamples` | app/src/main/java/com/example/shoppinglist/MainActivity.kt:129 | the empty text, a single space, tabs and line breaks, and the no-break and ideographic spaces are blank; ` a ` is not |
| `Text.BlankText` | app/src/main/java/com/example/shoppinglist/MainActivity.kt:129 | any text containing an ASCII letter or digit is not blank, so add accepts it as a name |
| `Text.ToDecimalString` | app/src/main/java/com/example/shoppinglist/MainActivity.kt:187 | `Int.toString` is non-empty, starts with `-` exactly for negative numbers, has only digits otherwise and no leading zero |
| `Text.ParseIntRejects` | app/src/main/java/com/example/shoppinglist/MainActivity.kt:132 | empty text, a lone sign, or any character that is neither a digit nor a leading sign fails to parse (where `toInt` throws and `toIntOrNull` gives null) |
| `Text.NatDigits` | app/src/main/java/com/example/shoppinglist/MainActivity.kt:187 | `toString` of a natural number is a non-empty run of digits with no leading zero; a text starting with `0` is exactly `0`, printed for 0 alone |
| `Text.NatDigitsValue` | app/src/main/java/com/example/shoppinglist/MainActivity.kt:187 | the printed digits read back as the same number |
| `Text.ParseToDecimalString` | app/src/main/java/com/example/shoppinglist/MainActivity.kt:187 | parsing what `toString` printed gives back every `Int`, negative ones included |
| `ShoppingItems.AddItem` | app/src/main/java/com/example/shoppinglist/MainActivity.kt:128-138 | a blank name leaves the list unchanged. With a non-blank name, add fails exactly when the quantity does not parse. Otherwise the result is the old list unchanged plus one entry at the end: id old length + 1, the given name, the parsed quantity, editor closed |
| `ShoppingItems.BeginEdit` | app/src/main/java/com/example/shoppinglist/MainActivity.kt:104 | length, order, ids, names and quantities are kept, and afterwards `isEditing` holds exactly for the entries whose id is the target |
| `ShoppingItems.CloseAll` | app/src/main/java/com/example/shoppinglist/MainActivity.kt:95 | same length, and every entry is its old self with the editor closed |
| `ShoppingItems.FirstWithId` | app/src/main/java/com/example/shoppinglist/MainActivity.kt:96 | a found position holds the target id and no earlier entry does; not found means no entry has the id |
| `ShoppingItems.CommitEdit` | app/src/main/java/com/example/shoppinglist/MainActivity.kt:94-101 | length, order and ids are kept and every editor ends closed; the first entry with the target id gets the new name and quantity; every other entry keeps its name and quantity |
| `ShoppingItems.LenientQuantity` | app/src/main/java/com/example/shoppinglist/MainActivity.kt:218 | the saved quantity is the parsed edited text when it parses, otherwise exactly 1 |
| `ShoppingItems.DeleteItem` | app/src/main/java/com/example/shoppinglist/MainActivity.kt:105 | when an equal entry is present the length drops by one, otherwise the list is unchanged |
| `ShoppingItems.DeleteItemMultiset` | app/src/main/java/com/example/shoppinglist/MainActivity.kt:105 | the remaining entries are the old ones with one copy of the item taken away (none when no entry equals it) |
| `ShoppingItems.DeleteFirstOccurrence` | app/src/main/java/com/example/shoppinglist/MainActivity.kt:105 | delete cuts out exactly the first equal entry and keeps the rest in order |
| `ShoppingItems.AddThenDelete` | app/src/main/java/com/example/shoppinglist/MainActivity.kt:134 | deleting the entry an add just appended restores the old list, when no earlier entry equals it |
| `ShoppingItems.BeginEditIdempotent` | app/src/main/java/com/example/shoppinglist/MainActivity.kt:104 | clicking the edit icon of the same id twice gives the same list as clicking it once |
| `ShoppingItems.BeginEditUnique` | app/src/main/java/com/example/shoppinglist/MainActivity.kt:104 | any list that keeps the fields and flags exactly the entries with the target id equals the begin-edit result |
| `ShoppingItems.BeginEditSingleEditor` | app/src/main/java/com/example/shoppinglist/MainActivity.kt:104 | if ids are distinct, no two entries have their editor open after begin-edit |
| `ShoppingItems.CommitEditNoMatch` | app/src/main/java/com/example/shoppinglist/MainActivity.kt:96-100 | if no entry has the target id, commit-edit only closes the editors |
| `ShoppingItems.SaveUnchangedEditor` | app/src/main/java/com/example/shoppinglist/MainActivity.kt:186-218 | saving the editor of the first entry with its id, with the name and the `toString` quantity left as prefilled, only closes the editors |
| `ShoppingItems.AddAndEditQuantities` | app/src/main/java/com/example/shoppinglist/MainActivity.kt:218 | the strict parse of add (line 132) and the lenient parse of save agree wherever add succeeds; where add throws, save stores 1 |
| `ShoppingItems.IdsCanRepeat` | app/src/main/java/com/example/shoppinglist/MainActivity.kt:130 | deleting the first of two entries and then adding one gives two entries with id 2 |
| `ShoppingItems.DuplicateIdEdit` | app/src/main/java/com/example/shoppinglist/MainActivity.kt:94-104 | when a later entry repeats an earlier entry's id, its edit icon opens both editors; saving it overwrites the earlier entry and only closes the later one |
| `ShoppingItems.StepLength` | app/src/main/java/com/example/shoppinglist/MainActivity.kt:95-134 | only an add with a non-blank name lengthens the list, by one. Only deleting a present entry shortens it, by one. Edits never change the length |
| `ShoppingItems.RunLength` | app/src/main/java/com/example/shoppinglist/MainActivity.kt:89-138 | over any run of actions, the length grows by at most the number of adds and shrinks by at most the number of deletes |
| `ShoppingStore.Store.constructor` | app/src/main/java/com/example/shoppinglist/MainActivity.kt:63 | the list starts empty |
| `ShoppingStore.Store.OnAddClick` | app/src/main/java/com/example/shoppinglist/MainActivity.kt:128-138 | the new list is the add result. When the parse throws, the list is left as it was. A successful add keeps the old entries as a prefix |
| `ShoppingStore.Store.OnEditClick` | app/src/main/java/com/example/shoppinglist/MainActivity.kt:104 | the new list is the begin-edit result for the clicked id |
| `ShoppingStore.Store.OnEditComplete` | app/src/main/java/com/example/shoppinglist/MainActivity.kt:94-101 | clearing the flags, finding the entry and overwriting its name and quantity in place gives the commit-edit result |
| `ShoppingStore.Store.OnDeleteClick` | app/src/main/java/com/example/shoppinglist/MainActivity.kt:105 | the new list is the delete result |

## Left out

- The Compose UI is not modelled: the activity, scaffold, lazy column, dialog, text fields, icons and theming. It has no behaviour of its own beyond showing the list and calling the handlers.
- Dialog and editor state (`showDialog`, `itemName`, `itemQuantity`, the editor's local `isEditing`) is not modelled. It is transient text-field state, not part of the list. This includes resetting `itemName` to a single space after an add.
- The delete icon is not modelled. Its `onClick` is `{ onDeleteClick }`, which refers to the callback but never calls it, so in the app as written no click reaches delete. `OnDeleteClick` models the handler itself (line 105).
- Recomposition and the observation semantics of `mutableStateOf` / `remember` are not modelled. These are framework behaviour.
- Items are values. Kotlin mutates the object that `find` returns. That object is a fresh `copy` made on line 95 and held only by the new list, so updating the entry at its position has the same effect.
- `Text.ParseInt`: digits are ASCII `0`-`9` only. Java's `Character.digit` also accepts other Unicode decimal digits.
- `Text.IsWhitespace` is a fixed set standing for Java's `isWhitespace || isSpaceChar`, which is what Kotlin's `Char.isWhitespace` tests. It is not derived from the Unicode tables of any particular JVM.
- `ShoppingItems.AddItem`: the id `size + 1` is unbounded. Kotlin's `Int` addition wraps when adding to a list of exactly 2^31 - 1 entries; that wrap-around is not modelled.
- `ShoppingItems.Run`: an add that throws ends the run with the list unchanged. The app crashes on such an exception, which is outside the list's state.
- Id uniqueness is not claimed, because the code does not maintain it (see `IdsCanRepeat`).
