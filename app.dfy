/** The application controller: the module-level to-do list, the stored
    snapshot and the announcement region, and the handlers that change them. */
module App {
  import opened Text
  import opened Items
  import opened Storage

  /** The question put to the user before the whole list is cleared. */
  const ClearPrompt := "Are you sure you want to clear the entire list?"

  class ToDoApp {
    /** The entries of the to-do list, in display order. */
    var items: seq<Item>
    /** The "myToDoList" storage slot; None when nothing was ever stored. */
    var stored: Option<seq<Record>>
    /** Text of the accessibility live region. */
    var confirmation: string

    /** The stored snapshot mirrors the list. */
    ghost predicate Synced()
      reads this
    {
      stored == Some(ToRecords(items))
    }

    /** A page session: an empty list beside whatever an earlier session stored. */
    constructor (saved: Option<seq<Record>>)
      ensures items == [] && stored == saved && confirmation == []
    {
      items := [];
      stored := saved;
      confirmation := [];
    }

    /** updatePesistentData: overwrite the slot with the whole list. */
    method UpdatePersistentData()
      modifies this`stored
      ensures Synced()
    {
      stored := Some(ToRecords(items));
    }

    /** loadListObject: append one entry per stored record, in stored order;
        nothing when the slot is empty. */
    method LoadListObject()
      modifies this`items
      ensures stored.None? ==> items == old(items)
      ensures stored.Some? ==> items == old(items) + FromRecords(stored.value)
      ensures stored.Some? && old(items) == [] ==> Synced()
    {
      if stored.None? {
        return;
      }
      var parsed := stored.value;
      var i := 0;
      while i < |parsed|
        invariant 0 <= i <= |parsed|
        invariant items == old(items) + FromRecords(parsed[..i])
      {
        FromRecordsSnoc(parsed, i);
        items := items + [ItemOf(parsed[i])];
        i := i + 1;
      }
      assert parsed[..i] == parsed;
      if old(items) == [] {
        LoadedIntoEmptyIsSynced(old(items), parsed);
      }
    }

    /** processSubmission: trim the entry; ignore it when nothing is left,
        otherwise append it under the next id, store the list and announce it. */
    method ProcessSubmission(entry: string)
      modifies this
      ensures var text := Trim(entry);
        if text == [] then
          items == old(items) && stored == old(stored) && confirmation == old(confirmation)
        else
          items == old(items) + [Item(NextItemId(old(items)), text)]
          && Synced() && confirmation == ConfirmationMessage(text, "added")
      ensures |items| == |old(items)| + (if AllTrimmable(entry) then 0 else 1)
      ensures IdsIncreasing(old(items)) ==> IdsIncreasing(items) && IdsUnique(items)
    {
      var newEntryText := Trim(entry);
      if |newEntryText| == 0 {
        if IdsIncreasing(items) {
          IncreasingIdsAreUnique(items);
        }
        return;
      }
      var nextItemId := NextItemId(items);
      if IdsIncreasing(items) {
        AppendNextKeepsIncreasing(items, newEntryText);
      }
      items := items + [Item(nextItemId, newEntryText)];
      UpdatePersistentData();
      confirmation := ConfirmationMessage(newEntryText, "added");
    }

    /** The clear-list handler: on an empty list nothing happens and nobody
        is asked; otherwise the user is asked, and only a yes empties the
        list and stores the empty list. Returns the question put, if any. */
    method ClearItems(confirmed: bool) returns (asked: Option<string>)
      modifies this
      ensures asked == if old(items) != [] then Some(ClearPrompt) else None
      ensures if old(items) != [] && confirmed then items == [] && stored == Some([])
              else items == old(items) && stored == old(stored)
      ensures confirmation == old(confirmation)
    {
      asked := None;
      if |items| > 0 {
        asked := Some(ClearPrompt);
        if confirmed {
          items := [];
          UpdatePersistentData();
        }
      }
    }
  }

  /** An entry with no whitespace at either end. */
  predicate IsTrimmedEntry(s: string) {
    s != [] && !IsTrimmable(s[0]) && !IsTrimmable(s[|s| - 1])
  }

  /** Two entries added in a fresh session get ids 1 and 2, and the slot
      then holds exactly those two entries. */
  method ExampleSession(first: string, second: string)
    requires IsTrimmedEntry(first) && IsTrimmedEntry(second)
  {
    var app := new ToDoApp(None);
    TrimKeepsTrimmed(first);
    app.ProcessSubmission(first);
    assert app.items == [Item(1, first)];
    TrimKeepsTrimmed(second);
    app.ProcessSubmission(second);
    assert app.items == [Item(1, first), Item(2, second)];
    assert app.stored == Some(ToRecords([Item(1, first), Item(2, second)]));
  }

  /** A later session that loads what an earlier one stored starts from
      the same list, so ids that were increasing still are, and the next
      id is again fresh. */
  method ExampleReload(items: seq<Item>) {
    var next := new ToDoApp(Some(ToRecords(items)));
    next.LoadListObject();
    ReloadRestoresList(items);
    assert next.items == items;
    assert IdsIncreasing(items) ==> IdsIncreasing(next.items);
  }
}
