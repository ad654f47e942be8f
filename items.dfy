/** To-do items and the rule the controller uses to number a new one. */
module Items {

  /** A to-do entry: the numeric id it is shown and removed under, and its text. */
  datatype Item = Item(id: int, text: string)

  /** Each id is larger than the one before it, as appending with
      NextItemId leaves them. */
  predicate IdsIncreasing(items: seq<Item>) {
    forall k :: 0 < k < |items| ==> items[k - 1].id < items[k].id
  }

  /** No two entries share an id. */
  predicate IdsUnique(items: seq<Item>) {
    forall j, k :: 0 <= j < k < |items| ==> items[j].id != items[k].id
  }

  /** calcNextItemId: 1 for an empty list, otherwise the LAST entry's id
      plus one (not the largest id plus one). On increasing ids that is
      larger than, so different from, every id in use. */
  function NextItemId(items: seq<Item>): (r: int)
    ensures items == [] ==> r == 1
    ensures IdsIncreasing(items) ==> forall k :: 0 <= k < |items| ==> items[k].id < r
  {
    if |items| > 0 then
      LastIsLargest(items);
      items[|items| - 1].id + 1
    else
      1
  }

  /** The next id is 1 on an empty list and otherwise is fixed by the
      last entry alone, whatever precedes it. */
  lemma NextIdFollowsLast(earlier: seq<Item>, last: Item)
    ensures NextItemId([]) == 1
    ensures NextItemId(earlier + [last]) == last.id + 1
  {
  }

  /** Because only the last id is looked at, a list whose ids are not
      increasing gets an id that is already taken. */
  lemma NextIdNotMaximum()
    ensures var items := [Item(2, "b"), Item(1, "a")];
      NextItemId(items) == items[0].id && !IdsUnique(items + [Item(NextItemId(items), "c")])
  {
    var items := [Item(2, "b"), Item(1, "a")];
    var grown := items + [Item(NextItemId(items), "c")];
    assert grown[0].id == grown[2].id;
  }

  /** Increasing ids on neighbours give increasing ids on every pair. */
  lemma {:induction false} IncreasingIsPairwise(items: seq<Item>, j: nat, k: nat)
    requires IdsIncreasing(items) && j < k < |items|
    ensures items[j].id < items[k].id
    decreases k - j
  {
    if j + 1 < k {
      IncreasingIsPairwise(items, j + 1, k);
    }
  }

  lemma IncreasingIdsAreUnique(items: seq<Item>)
    requires IdsIncreasing(items)
    ensures IdsUnique(items)
  {
    forall j, k | 0 <= j < k < |items| ensures items[j].id != items[k].id {
      IncreasingIsPairwise(items, j, k);
    }
  }

  /** On increasing ids the last entry holds the largest id. */
  lemma LastIsLargest(items: seq<Item>)
    requires |items| > 0
    ensures IdsIncreasing(items) ==> forall k :: 0 <= k < |items| ==> items[k].id <= items[|items| - 1].id
  {
    if IdsIncreasing(items) {
      forall k | 0 <= k < |items| - 1 ensures items[k].id <= items[|items| - 1].id {
        IncreasingIsPairwise(items, k, |items| - 1);
      }
    }
  }

  /** Appending an entry under the next id keeps the ids increasing, and
      so unique. */
  lemma AppendNextKeepsIncreasing(items: seq<Item>, text: string)
    requires IdsIncreasing(items)
    ensures IdsIncreasing(items + [Item(NextItemId(items), text)])
    ensures IdsUnique(items + [Item(NextItemId(items), text)])
  {
    var grown := items + [Item(NextItemId(items), text)];
    forall k | 0 < k < |grown| ensures grown[k - 1].id < grown[k].id {
      if k < |items| {
        assert grown[k - 1] == items[k - 1] && grown[k] == items[k];
      }
    }
    IncreasingIdsAreUnique(grown);
  }
}
