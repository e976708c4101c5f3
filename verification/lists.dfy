/**
 * The id-keyed list updates the application performs on immer drafts:
 * `findIndex(x => x.id === id)` followed by `splice(index, 1)` or
 * `splice(index, 1, replacement)` when the index is not -1.
 */
module Lists {
  import opened Utils

  /** `findIndex`: the position of the first item whose id is `id`, or -1. */
  function FindIndex<T>(items: seq<T>, idOf: T -> int, id: int): (i: int)
    ensures -1 <= i < |items|
    ensures i == -1 <==> forall j :: 0 <= j < |items| ==> idOf(items[j]) != id
    ensures 0 <= i ==> idOf(items[i]) == id && forall j :: 0 <= j < i ==> idOf(items[j]) != id
    decreases |items|
  {
    if |items| == 0 then -1
    else if idOf(items[0]) == id then 0
    else
      var k := FindIndex(items[1..], idOf, id);
      assert forall j :: 1 <= j < |items| ==> items[j] == items[1..][j - 1];
      if k == -1 then -1 else k + 1
  }

  /**
   * Replace the first item with the id of `x` by `x`. The length and every
   * other position are unchanged; nothing changes when no id matches.
   */
  function ReplaceFirst<T>(items: seq<T>, idOf: T -> int, x: T): (r: seq<T>)
    ensures |r| == |items|
    ensures forall j :: 0 <= j < |items| ==>
      r[j] == if j == FindIndex(items, idOf, idOf(x)) then x else items[j]
  {
    var i := FindIndex(items, idOf, idOf(x));
    if i == -1 then items else items[..i] + [x] + items[i + 1..]
  }

  /**
   * Remove the first item whose id is `id`, keeping the others in order;
   * nothing changes when no id matches.
   */
  function RemoveFirst<T>(items: seq<T>, idOf: T -> int, id: int): (r: seq<T>)
    ensures FindIndex(items, idOf, id) == -1 ==> r == items
    ensures FindIndex(items, idOf, id) != -1 ==>
      var i := FindIndex(items, idOf, id);
      && |r| == |items| - 1
      && (forall j :: 0 <= j < i ==> r[j] == items[j])
      && (forall j :: i <= j < |r| ==> r[j] == items[j + 1])
  {
    var i := FindIndex(items, idOf, id);
    if i == -1 then items else items[..i] + items[i + 1..]
  }

  /** Replacing an item by one with the same id keeps the ids pairwise distinct. */
  lemma ReplaceFirstKeepsDistinct<T>(items: seq<T>, idOf: T -> int, x: T)
    requires DistinctIds(items, idOf)
    ensures DistinctIds(ReplaceFirst(items, idOf, x), idOf)
  {
    var r := ReplaceFirst(items, idOf, x);
    var k := FindIndex(items, idOf, idOf(x));
    forall i, j | 0 <= i < j < |r| ensures idOf(r[i]) != idOf(r[j]) {
      if i == k {
        assert idOf(r[i]) == idOf(items[i]);
      }
      if j == k {
        assert idOf(r[j]) == idOf(items[j]);
      }
    }
  }

  /**
   * When ids are pairwise distinct, removing `id` leaves no item with that id
   * and keeps the rest distinct.
   */
  lemma RemoveFirstDropsId<T>(items: seq<T>, idOf: T -> int, id: int)
    requires DistinctIds(items, idOf)
    ensures DistinctIds(RemoveFirst(items, idOf, id), idOf)
    ensures forall j :: 0 <= j < |RemoveFirst(items, idOf, id)| ==> idOf(RemoveFirst(items, idOf, id)[j]) != id
  {
    var r := RemoveFirst(items, idOf, id);
    var k := FindIndex(items, idOf, id);
    if k != -1 {
      forall j | 0 <= j < |r| ensures idOf(r[j]) != id {
        if j >= k {
          assert r[j] == items[j + 1];
          assert idOf(items[k]) != idOf(items[j + 1]);
        }
      }
      forall i, j | 0 <= i < j < |r| ensures idOf(r[i]) != idOf(r[j]) {
        var i', j' := if i < k then i else i + 1, if j < k then j else j + 1;
        assert r[i] == items[i'] && r[j] == items[j'];
      }
    }
  }
}
