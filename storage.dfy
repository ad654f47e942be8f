/** The stored form of the list: the "myToDoList" slot holds a JSON array
    of `{ "_id", "_item" }` records, one per entry, in list order. */
module Storage {
  import opened Items

  datatype Option<T> = None | Some(value: T)

  /** One serialized entry; `id` and `item` stand for the `_id` and
      `_item` keys. */
  datatype Record = Record(id: int, item: string)

  /** The entry createNewItem builds from a parsed record; writing it out
      again gives back that record. */
  function ItemOf(rec: Record): (it: Item)
    ensures Record(it.id, it.text) == rec
  {
    Item(rec.id, rec.item)
  }

  /** The record JSON.stringify writes for an entry. */
  function RecordOf(it: Item): (rec: Record)
    ensures ItemOf(rec) == it
  {
    Record(it.id, it.text)
  }

  /** Serialization of the list: one record per entry, in list order. */
  function ToRecords(items: seq<Item>): (recs: seq<Record>)
    ensures |recs| == |items|
    ensures forall k :: 0 <= k < |items| ==> recs[k].id == items[k].id && recs[k].item == items[k].text
  {
    if items == [] then [] else ToRecords(items[..|items| - 1]) + [RecordOf(items[|items| - 1])]
  }

  /** The entries rebuilt from parsed records, one per record, in stored order. */
  function FromRecords(recs: seq<Record>): (items: seq<Item>)
    ensures |items| == |recs|
    ensures forall k :: 0 <= k < |recs| ==> items[k].id == recs[k].id && items[k].text == recs[k].item
  {
    if recs == [] then [] else FromRecords(recs[..|recs| - 1]) + [ItemOf(recs[|recs| - 1])]
  }

  /** Rebuilding one more record appends one more entry. */
  lemma FromRecordsSnoc(recs: seq<Record>, i: nat)
    requires i < |recs|
    ensures FromRecords(recs[..i + 1]) == FromRecords(recs[..i]) + [ItemOf(recs[i])]
    ensures forall before: seq<Item> {:trigger before + FromRecords(recs[..i + 1])} ::
      before + FromRecords(recs[..i + 1]) == (before + FromRecords(recs[..i])) + [ItemOf(recs[i])]
  {
  }

  /** Loading into an empty list gives a list whose serialization is the
      stored records. */
  lemma LoadedIntoEmptyIsSynced(before: seq<Item>, recs: seq<Record>)
    requires before == []
    ensures ToRecords(before + FromRecords(recs)) == recs
  {
  }

  /** Reading back what was written reproduces the list: same ids and
      texts in the same order. */
  lemma ReloadRestoresList(items: seq<Item>)
    ensures FromRecords(ToRecords(items)) == items
  {
  }

  /** Rewriting what was read reproduces the stored records. */
  lemma RewriteRestoresRecords(recs: seq<Record>)
    ensures ToRecords(FromRecords(recs)) == recs
  {
  }
}
