# To-do list controller, modelled in Dafny

This project models the controller of a small browser to-do list
(`js/main.js`). Without the page and the browser storage, the controller is a
small state machine. Its state is an ordered list of `(id, text)` entries, the
browser-storage slot `"myToDoList"` and the text of the accessibility live
region. It has these transitions:

- **submit** (`processSubmission`): trim the entry field. An entry that is
  empty after trimming is ignored. Any other entry is appended under the id
  from `calcNextItemId`. The whole list is then written to the slot and
  "`<text> added.`" is announced.
- **clear** (the clear-list click handler): nothing happens on an empty list.
  Otherwise the user is asked "Are you sure you want to clear the entire
  list?". Only a yes empties the list and writes the empty list to the slot.
- **load** (`loadListObject`): when the slot holds a string, append one entry
  per stored record, in stored order.
- **next id** (`calcNextItemId`): `1` for an empty list, otherwise the *last*
  entry's id plus one. This is not the largest id plus one.

Modules:

- `Text` (`text.dfy`): `String.prototype.trim` over the ECMAScript whitespace
  and line-terminator code points, and the announcement `${text} ${verb}.`.
- `Items` (`items.dfy`): the entry value, the next-id rule, and the ordering
  of ids. The ids are increasing when each id is larger than the one before
  it. The contract of `NextItemId` says this ordering makes the next id
  fresh, and a lemma shows that appending under the next id keeps it.
- `Storage` (`storage.dfy`): the stored record `{_id, _item}`, serialization
  of the list into records and back, and both round trips.
- `App` (`app.dfy`): the class `ToDoApp`. It holds the list (`items`), the
  slot (`stored`) and the live region (`confirmation`). Its methods are the
  handlers, and each states the whole new state. The ghost predicate
  `Synced()` says the slot mirrors the list. Two client methods show what a
  caller can prove from the contracts alone. `ExampleSession` shows that two
  entries added in a fresh session get ids 1 and 2 and are what the slot then
  holds. `ExampleReload` shows that a session loading a stored list starts
  from that same list, so ids that were increasing still are.

`ToDoList` and `ToDoItem` (`totolist.js`, `todoitem.js`) are not part of this
model. The model assumes the following about them:

- `new ToDoList()` starts empty.
- `getList()` returns the entries in insertion order.
- `addItemToList` appends one entry.
- `clearList` empties the list.
- `ToDoItem` stores the id and text it is given with `setId`/`setItem`.
- `JSON.stringify` of an entry is the record `{_id, _item}`.

The list is the `seq<Item>` field `items`, and `createNewItem` is the
constructor `Item(id, text)`.

Two behaviours of the code worth noting:

- **Load appends.** `loadListObject` appends to the current list. It runs
  once, at start-up, on the empty list, so there it amounts to replacing the
  list with the stored one.
- **Malformed storage.** Stored text that is not valid JSON makes `JSON.parse`
  (`js/main.js:43`) throw, and no handler catches it.

## Model

| member | source | states |
|---|---|---|
| `Text.Trim` | js/main.js:134-136 | the submitted text is the slice of the raw entry left after removing leading and trailing ECMAScript whitespace; the removed prefix and suffix are all whitespace; the result neither starts nor ends with whitespace; it is empty exactly when the entry is all whitespace |
| `Text.TrimKeepsTrimmed` | js/main.js:135 | an entry with no whitespace at either end is submitted exactly as typed |
| `Text.TrimIdempotent` | js/main.js:135 | trimming an already trimmed entry changes nothing |
| `Text.ConfirmationMessage` | js/main.js:154-156 | the announcement is the text, one space, the verb and a full stop, each at its position; its length is the two lengths plus two |
| `Text.ConfirmationNamesText` | js/main.js:154-156 | for a fixed verb, equal announcements name the same text |
| `Items.NextItemId` | js/main.js:138-145 | the next id is 1 on an empty list; when the ids are increasing it is larger than, so different from, every id in use (its partner `Items.AppendNextKeepsIncreasing` shows appending under it keeps the ids increasing) |
| `Items.NextIdFollowsLast` | js/main.js:138-145 | the next id is 1 on an empty list; on a non-empty list it is the last entry's id plus one, whatever entries come before it |
| `Items.NextIdNotMaximum` | js/main.js:141-143 | because only the last id is read, a list whose ids are not increasing (ids 2 then 1) gets the id 2 again, and the grown list has a duplicate id |
| `Items.LastIsLargest` | js/main.js:142 | when the ids are increasing, the last entry, the one the next-id rule reads, holds the largest id |
| `Items.IncreasingIdsAreUnique` | js/main.js:138-145 | ids that each exceed their predecessor are pairwise distinct |
| `Items.AppendNextKeepsIncreasing` | js/main.js:126-128 | appending an entry under the next id keeps the ids increasing, and therefore unique |
| `Storage.ItemOf` | js/main.js:45 | the entry `createNewItem` builds from a parsed record is written back out as that same record (its partner `Storage.RecordOf` gives the other direction) |
| `Storage.RecordOf` | js/main.js:112 | the record written for an entry is read back as that same entry |
| `Storage.ToRecords` | js/main.js:111-113 | the slot receives one record per entry, in list order, with the entry's id and text |
| `Storage.FromRecords` | js/main.js:43-47 | loading builds one entry per stored record, in stored order, with the record's `_id` and `_item` |
| `Storage.ReloadRestoresList` | js/main.js:40-48 | reading back what was written gives the same ids and texts in the same order |
| `Storage.RewriteRestoresRecords` | js/main.js:111-113 | writing what was read gives back the stored records unchanged |
| `App.ToDoApp.constructor` | js/main.js:4 | a session starts with an empty list, the slot as an earlier session left it, and an empty live region |
| `App.ToDoApp.UpdatePersistentData` | js/main.js:111-113 | the slot is overwritten with the serialized list, so afterwards it mirrors the list |
| `App.ToDoApp.LoadListObject` | js/main.js:40-48 | with no stored string the list is unchanged; otherwise the stored records are appended as entries, one per record, in order; loading into an empty list leaves the slot mirroring the list |
| `App.ToDoApp.ProcessSubmission` | js/main.js:123-132 | an entry that is empty after trimming changes nothing (list, slot and announcement); any other entry appends one entry with the next id and the trimmed text and keeps the earlier entries; the slot then mirrors the new list; "`<text> added.`" is announced; the list grows by one exactly when the entry is not all whitespace; increasing, and so unique, ids stay that way |
| `App.ToDoApp.ClearItems` | js/main.js:21-32 | the user is asked the clear-list question exactly when the list is non-empty; a yes on a non-empty list empties the list and writes the empty list; every other case changes neither the list nor the slot; the announcement is untouched |

## Left out

- The checkbox removal handler (`js/main.js:95-105`) and `getLabelText`:
  `removeItemFromList` is defined in `totolist.js`, which is not part of this
  model. It matches the string `checkbox.id` against the entries' ids, and
  that matching cannot be stated from the visible code. The "removed from
  list" announcement goes with it.
- Rendering and page plumbing: `initApp`'s listener wiring, `refreshThePage`,
  `clearListDisplay`, `deleteContents`, `renderList`, `buildListItem`,
  `clearItemEntryField` and `setFocusOnItemEntry`. They only manipulate the
  page. The model's state after each handler is the state these functions
  render.
- `localStorage` and `JSON.parse`/`JSON.stringify`: these are foreign calls.
  The slot is the field `stored`, with `None` for a missing key. A write
  assigns the serialized list to it. Stored text that is not valid JSON, or
  records without a numeric `_id` and a string `_item`, are not modelled.
  `JSON.parse` throws on the first, and the second falls outside the records
  the controller writes.
  A failing `setItem` (storage full or disabled) is not modelled either:
  every write is taken to succeed. In the code such a throw would leave the
  new entry in the list (`js/main.js:128`) with the slot stale (`:129`) and
  skip the announcement and re-render (`:130-131`); `ProcessSubmission` and
  `ClearItems` promise a mirrored slot only under that assumption.
- The `confirm()` dialog is the boolean parameter `confirmed` of `ClearItems`.
  The question asked is returned.
- The `setTimeout` delay of 1000 ms before re-rendering belongs to the
  removal handler and affects timing only.
- Item ids are unbounded integers. JavaScript numbers are exact only up to
  2^53, and a non-numeric stored `_id` would make `id + 1` behave
  differently. Neither case arises from ids the controller assigns itself.
- Strings are sequences of Unicode scalar values, not UTF-16 code units.
  Every code point `trim` removes lies in the Basic Multilingual Plane, so
  trimming agrees.
- The live region's text before the first announcement comes from the page.
  The model starts it empty.
