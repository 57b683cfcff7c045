/**
 * The `useDeferredValue` demo (SearchDemo): the list of matching items that
 * `HeavyList` renders for a query, and the "Rendering..." indicator shown
 * while the deferred query lags behind the typed one. The deferral itself is
 * React's and the artificial busy-wait is not modelled.
 */
module DeferredSearch {
  import opened Text

  /** HeavyList scans indices 0 .. ItemCount - 1. */
  const ItemCount: nat := 500

  /** The label `Item ${i}` that the query is matched against. */
  function ItemLabel(i: nat): string {
    "Item " + NatToString(i)
  }

  /** The label is matched as "item <i>": lower-casing only touches the word. */
  lemma LowerItemLabel(i: nat)
    ensures Lower(ItemLabel(i)) == "item " + NatToString(i)
  {
    var d := NatToString(i);
    LowerDigits(d);
    assert Lower(ItemLabel(i)) == Lower("Item ") + Lower(d);
  }

  /** Index i is listed when its lower-cased label contains the lower-cased query. */
  predicate Listed(query: string, i: nat) {
    Contains(Lower(ItemLabel(i)), Lower(query))
  }

  /** What HeavyList renders: the "Type to search..." placeholder, or the list of matching indices ("No results found" when empty). */
  datatype ListView = Placeholder | Results(items: seq<nat>)

  /** The list shows "No results found". */
  predicate NoResults(view: ListView) {
    view.Results? && view.items == []
  }

  /** The indices below n that are listed for the query, in increasing order. */
  function MatchingIndices(query: string, n: nat): seq<nat>
    decreases n
  {
    if n == 0 then []
    else MatchingIndices(query, n - 1) + (if Listed(query, n - 1) then [n - 1] else [])
  }

  /** What HeavyList renders for a query. */
  function View(query: string): ListView {
    if query == "" then Placeholder else Results(MatchingIndices(query, ItemCount))
  }

  /** `HeavyList({ query })`: the early return for an empty query, then the filtering loop over 0..499. */
  method HeavyList(query: string) returns (view: ListView)
    ensures view == View(query)
  {
    if query == "" {
      return Placeholder;
    }
    var items: seq<nat> := [];
    for i := 0 to ItemCount
      invariant items == MatchingIndices(query, i)
    {
      if query != "" && !Contains(Lower(ItemLabel(i)), Lower(query)) {
        continue;
      }
      items := items + [i];
    }
    view := Results(items);
  }

  /** An index is listed exactly when it is below 500 and its label matches. */
  lemma {:induction false} MatchingIndicesExact(query: string, n: nat, i: nat)
    ensures i in MatchingIndices(query, n) <==> i < n && Listed(query, i)
    decreases n
  {
    if n > 0 {
      MatchingIndicesExact(query, n - 1, i);
    }
  }

  /** The listed indices are strictly increasing and below n, so there are at most n of them. */
  lemma {:induction false} MatchingIndicesIncreasing(query: string, n: nat)
    ensures forall j, k :: 0 <= j < k < |MatchingIndices(query, n)| ==>
              MatchingIndices(query, n)[j] < MatchingIndices(query, n)[k]
    ensures forall k :: 0 <= k < |MatchingIndices(query, n)| ==> MatchingIndices(query, n)[k] < n
    ensures |MatchingIndices(query, n)| <= n
    decreases n
  {
    if n > 0 {
      MatchingIndicesIncreasing(query, n - 1);
    }
  }

  /** An empty query shows the placeholder; any other shows the matching indices, in order, at most 500 of them. */
  lemma ViewShape(query: string)
    ensures View(query).Placeholder? <==> query == ""
    ensures View(query).Results? ==>
              && |View(query).items| <= ItemCount
              && (forall i: nat :: i in View(query).items <==> i < ItemCount && Listed(query, i))
              && (forall j, k :: 0 <= j < k < |View(query).items| ==> View(query).items[j] < View(query).items[k])
  {
    MatchingIndicesIncreasing(query, ItemCount);
    forall i: nat
      ensures i in MatchingIndices(query, ItemCount) <==> i < ItemCount && Listed(query, i)
    {
      MatchingIndicesExact(query, ItemCount, i);
    }
  }

  /** "No results found" appears exactly when the query is non-empty and no index matched. */
  lemma NoResultsIff(query: string)
    ensures NoResults(View(query)) <==> query != "" && forall i: nat :: i < ItemCount ==> !Listed(query, i)
  {
    if query != "" {
      forall i: nat
        ensures i in MatchingIndices(query, ItemCount) <==> i < ItemCount && Listed(query, i)
      {
        MatchingIndicesExact(query, ItemCount, i);
      }
      if MatchingIndices(query, ItemCount) != [] {
        assert MatchingIndices(query, ItemCount)[0] in MatchingIndices(query, ItemCount);
      }
    }
  }

  /** Matching ignores letter case: a query and its upper-cased form list the same indices. */
  lemma CaseInsensitive(query: string)
    ensures forall i: nat :: Listed(Upper(query), i) == Listed(query, i)
    ensures View(Upper(query)) == View(query)
  {
    LowerOfUpper(query);
    SameListedSameMatches(Upper(query), query, ItemCount);
  }

  lemma {:induction false} SameListedSameMatches(q1: string, q2: string, n: nat)
    requires forall i: nat :: i < n ==> Listed(q1, i) == Listed(q2, i)
    ensures MatchingIndices(q1, n) == MatchingIndices(q2, n)
    decreases n
  {
    if n > 0 {
      SameListedSameMatches(q1, q2, n - 1);
    }
  }

  /** The "Rendering..." indicator above the optimized column, for the typed and the deferred query. */
  function RenderingIndicator(query: string, deferredQuery: string): (shown: bool)
    ensures shown <==> query != deferredQuery
  {
    query != deferredQuery
  }

  /**
   * A sanity fact: the optimized column renders `HeavyList` for the
   * deferred query and the comparison column for the typed one, so whenever
   * the two columns show different lists, the indicator is on.
   */
  lemma ColumnsDifferOnlyWhileRendering(query: string, deferredQuery: string)
    ensures View(deferredQuery) != View(query) ==> RenderingIndicator(query, deferredQuery)
  {
  }

  /**
   * The indicator follows the query text, not the list: when the typed
   * query changes only in letter case, "Rendering..." is shown although
   * the deferred list is already the right one.
   */
  lemma IndicatorTracksQueryNotList(deferredQuery: string)
    requires Upper(deferredQuery) != deferredQuery
    ensures RenderingIndicator(Upper(deferredQuery), deferredQuery)
    ensures View(deferredQuery) == View(Upper(deferredQuery))
  {
    CaseInsensitive(deferredQuery);
  }
}
