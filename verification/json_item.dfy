/** The formatter's document item, restricted to the fields the converter assigns. */
module JsonItems {

  /** The seven value types of an item. */
  datatype JsonItemType = Object | Array | String | Number | True | False | Null

  /** An item: its type, its name (the quoted property key, or empty), its literal text (scalars
      only), its children in order, and its complexity (0 unless assigned). */
  datatype JsonItem = JsonItem(itemType: JsonItemType, name: string, value: string, children: seq<JsonItem>, complexity: nat)

  /** The largest complexity among a non-empty sequence of items. */
  function MaxComplexity(items: seq<JsonItem>): (m: nat)
    requires |items| > 0
    ensures forall i :: 0 <= i < |items| ==> items[i].complexity <= m
    ensures exists i :: 0 <= i < |items| && items[i].complexity == m
    decreases |items|
  {
    if |items| == 1 then items[0].complexity
    else
      var rest := MaxComplexity(items[1..]);
      assert forall i :: 1 <= i < |items| ==> items[i] == items[1..][i - 1];
      if items[0].complexity < rest then rest else items[0].complexity
  }

  /** Every item of the tree has complexity 0 if it has no children, and one more than the largest
      complexity among its children otherwise. */
  predicate ComplexityConsistent(item: JsonItem)
    decreases item
  {
    && item.complexity == (if item.children == [] then 0 else 1 + MaxComplexity(item.children))
    && forall i :: 0 <= i < |item.children| ==> ComplexityConsistent(item.children[i])
  }

  /** Whether `d` is reached from `item` by following children zero or more times. */
  predicate IsDescendant(d: JsonItem, item: JsonItem)
    decreases item
  {
    d == item || exists i :: 0 <= i < |item.children| && IsDescendant(d, item.children[i])
  }

  /** In a consistent tree complexity grows strictly from child to parent, so no descendant has a
      greater complexity than its ancestor and every proper descendant has a smaller one. */
  lemma {:induction false} ComplexityDecreasesDownward(item: JsonItem, d: JsonItem)
    requires ComplexityConsistent(item)
    requires IsDescendant(d, item)
    ensures d.complexity <= item.complexity
    ensures d != item ==> d.complexity < item.complexity
    decreases item
  {
    if d != item {
      var i :| 0 <= i < |item.children| && IsDescendant(d, item.children[i]);
      ComplexityDecreasesDownward(item.children[i], d);
    }
  }
}
