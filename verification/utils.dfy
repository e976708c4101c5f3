/**
 * Identity allocation (src/utils.ts): `getNextIdForItems`.
 *
 * An item is anything with an id; `idOf` reads that id.
 */
module Utils {

  /** The set of ids carried by `items`. */
  ghost function IdSet<T>(items: seq<T>, idOf: T -> int): set<int> {
    set i | 0 <= i < |items| :: idOf(items[i])
  }

  /**
   * `items.reduce((maxId, item) => Math.max(maxId, item.id), acc)`: the
   * largest of `acc` and every id.
   */
  function MaxIdFrom<T>(acc: int, items: seq<T>, idOf: T -> int): (m: int)
    ensures acc <= m
    ensures forall i :: 0 <= i < |items| ==> idOf(items[i]) <= m
    ensures m == acc || exists i :: 0 <= i < |items| && idOf(items[i]) == m
    decreases |items|
  {
    if |items| == 0 then acc
    else
      var m := MaxIdFrom(if acc >= idOf(items[0]) then acc else idOf(items[0]), items[1..], idOf);
      assert forall i :: 1 <= i < |items| ==> items[i] == items[1..][i - 1];
      m
  }

  /**
   * `getNextIdForItems`: 1 for an empty list, otherwise one more than the
   * largest of 0 and every id. The result is at least 1, exceeds every id,
   * and is the least integer that does both.
   */
  function NextIdForItems<T>(items: seq<T>, idOf: T -> int): (r: int)
    ensures 1 <= r
    ensures forall i :: 0 <= i < |items| ==> idOf(items[i]) < r
    ensures r == 1 || exists i :: 0 <= i < |items| && idOf(items[i]) == r - 1
  {
    if |items| > 0 then MaxIdFrom(0, items, idOf) + 1 else 1
  }

  /** The allocated id depends only on the set of ids, not on their order or repetition. */
  lemma {:induction false} NextIdDependsOnlyOnIdSet<T>(a: seq<T>, b: seq<T>, idOf: T -> int)
    requires IdSet(a, idOf) == IdSet(b, idOf)
    ensures NextIdForItems(a, idOf) == NextIdForItems(b, idOf)
  {
    var ra, rb := NextIdForItems(a, idOf), NextIdForItems(b, idOf);
    if ra != 1 {
      var i :| 0 <= i < |a| && idOf(a[i]) == ra - 1;
      assert ra - 1 in IdSet(a, idOf);
      var j :| 0 <= j < |b| && idOf(b[j]) == ra - 1;
    }
    if rb != 1 {
      var j :| 0 <= j < |b| && idOf(b[j]) == rb - 1;
      assert rb - 1 in IdSet(b, idOf);
      var i :| 0 <= i < |a| && idOf(a[i]) == rb - 1;
    }
  }

  /** No item of a list whose ids are pairwise distinct shares its id with another. */
  ghost predicate DistinctIds<T>(items: seq<T>, idOf: T -> int) {
    forall i, j :: 0 <= i < j < |items| ==> idOf(items[i]) != idOf(items[j])
  }

  /** Appending an item with the allocated id keeps the ids pairwise distinct. */
  lemma AppendWithNextIdKeepsDistinct<T>(items: seq<T>, idOf: T -> int, x: T)
    requires DistinctIds(items, idOf)
    requires idOf(x) == NextIdForItems(items, idOf)
    ensures DistinctIds(items + [x], idOf)
  {
    var s := items + [x];
    forall i, j | 0 <= i < j < |s| ensures idOf(s[i]) != idOf(s[j]) {
      if j == |items| {
        assert s[i] == items[i];
      } else {
        assert s[i] == items[i] && s[j] == items[j];
      }
    }
  }
}
